/** General helpers of the backend (telebot_constructor/utils/__init__.py). */
module PyUtils {
  import opened Base
  import opened Strings
  import RedisList
  import opened Localization
  import FlowTypes

  /** The distinct items that occur more than once, in the order first seen (the order of
      `collections.Counter`). */
  function Duplicates(items: seq<string>): (r: seq<string>)
    ensures forall x :: x in r <==> Count(items, x) > 1
    ensures Distinct(r)
    ensures InFirstSeenOrder(r, items)
  {
    var r := Filter(Dedup(items), (v: string) => Count(items, v) > 1);
    DedupOrder(items);
    FilterFirstSeenOrder(Dedup(items), items, (v: string) => Count(items, v) > 1);
    DedupSpec(items);
    forall x ensures x in r <==> Count(items, x) > 1 {
      FilterMembership(Dedup(items), (v: string) => Count(items, v) > 1, x);
      CountPositive(items, x);
    }
    FilterDistinct(Dedup(items), (v: string) => Count(items, v) > 1);
    r
  }

  lemma {:induction false} FilterDistinct<T>(xs: seq<T>, p: T -> bool)
    requires Distinct(xs)
    ensures Distinct(Filter(xs, p))
  {
    if xs != [] {
      FilterDistinct(xs[1..], p);
      FilterMembership(xs[1..], p, xs[0]);
      assert xs[0] !in xs[1..];
    }
  }

  /** A sequence is free of repetitions exactly when nothing occurs twice. */
  lemma {:induction false} DistinctCount<T>(xs: seq<T>)
    ensures Distinct(xs) <==> forall x :: Count(xs, x) <= 1
  {
    if xs != [] {
      var t := xs[1..];
      DistinctCount(t);
      CountPositive(t, xs[0]);
      assert Count(xs, xs[0]) == 1 + Count(t, xs[0]);
      if Distinct(xs) {
        assert Distinct(t);
        assert xs[0] !in t;
        forall x ensures Count(xs, x) <= 1 {
          assert Count(xs, x) == (if xs[0] == x then 1 else 0) + Count(t, x);
          if xs[0] == x {
            assert Count(t, x) == 0;
          } else {
            assert Count(t, x) <= 1;
          }
        }
      } else {
        var i, j :| 0 <= i < j < |xs| && xs[i] == xs[j];
        if i == 0 {
          assert xs[0] in t by { assert t[j - 1] == xs[j]; }
        } else {
          assert !Distinct(t) by { assert t[i - 1] == t[j - 1]; }
          var x :| Count(t, x) > 1;
          assert Count(xs, x) == (if xs[0] == x then 1 else 0) + Count(t, x);
        }
      }
    }
  }

  /** `validate_unique`: raises when an item repeats, naming each repeated item once. */
  function ValidateUnique(items: seq<string>, itemsName: string, prefix: string := ""): (r: Throws<()>)
    ensures r.Raises? <==> !Distinct(items)
    ensures r.Raises? ==>
      r.message == prefix + "All " + itemsName + " must be unique, but there are duplicates: " + Join(Duplicates(items), ", ")
  {
    var repeating := Duplicates(items);
    DistinctCount(items);
    if |repeating| > 0 then
      assert Count(items, repeating[0]) > 1;
      Raises(prefix + "All " + itemsName + " must be unique, but there are duplicates: " + Join(repeating, ", "))
    else
      assert forall x :: Count(items, x) <= 1 by {
        forall x ensures Count(items, x) <= 1 {
          assert x !in repeating;
        }
      }
      Returns(())
  }

  /** `format_telegram_user`: one of four shapes, the bare full name or the name followed
      in parentheses by the username (when set and non-empty, as `if user.username`
      tests) and the id (when asked for), in that order. */
  function FormatTelegramUser(fullName: string, username: Option<string>, userId: int, withId: bool): (r: string)
    ensures (username.None? || username.value == "") && !withId ==> r == fullName
    ensures username.Some? && username.value != "" && !withId ==> r == fullName + " (" + "@" + username.value + ")"
    ensures (username.None? || username.value == "") && withId ==> r == fullName + " (" + "#" + IntToString(userId) + ")"
    ensures username.Some? && username.value != "" && withId ==>
      r == fullName + " (" + "@" + username.value + ", " + "#" + IntToString(userId) + ")"
  {
    var hasUser := username.Some? && username.value != "";
    var idText := IntToString(userId);
    if hasUser && withId then
      AppendedUserAndId(fullName, username.value, idText);
      Appended(fullName, ["@" + username.value] + ["#" + idText])
    else if hasUser then
      AppendedOne(fullName, "@", username.value);
      Appended(fullName, ["@" + username.value] + [])
    else if withId then
      AppendedOne(fullName, "#", idText);
      Appended(fullName, [] + ["#" + idText])
    else Appended(fullName, [])
  }

  /** The full name, and the appendix in parentheses when there is one. */
  function Appended(fullName: string, appendix: seq<string>): string
  {
    if |appendix| > 0 then fullName + " (" + Join(appendix, ", ") + ")" else fullName
  }

  lemma AppendedUserAndId(fullName: string, username: string, idText: string)
    ensures Appended(fullName, ["@" + username] + ["#" + idText]) == fullName + " (" + "@" + username + ", " + "#" + idText + ")"
  {
    AppendixJoin(["@" + username], ["#" + idText]);
    ConcatAssoc4(fullName + " (", "@", username, ", " + "#" + idText, ")");
  }

  lemma AppendedOne(fullName: string, marker: string, part: string)
    ensures Appended(fullName, [marker + part] + []) == fullName + " (" + marker + part + ")"
    ensures Appended(fullName, [] + [marker + part]) == fullName + " (" + marker + part + ")"
  {
    AppendixJoin([marker + part], []);
    AppendixJoin([], [marker + part]);
    ConcatAssoc4(fullName + " (", marker, part, "", ")");
  }

  lemma ConcatAssoc4(a: string, b: string, c: string, d: string, e: string)
    ensures a + (b + c + d) + e == a + b + c + d + e
  {
  }

  lemma AppendixJoin(user: seq<string>, id: seq<string>)
    requires |user| <= 1 && |id| <= 1
    ensures |user| == 1 && |id| == 0 ==> Join(user + id, ", ") == user[0]
    ensures |user| == 0 && |id| == 1 ==> Join(user + id, ", ") == id[0]
    ensures |user| == 1 && |id| == 1 ==> Join(user + id, ", ") == user[0] + ", " + id[0]
  {
    if |user| == 1 && |id| == 1 {
      assert (user + id)[1..] == id;
    } else if |user| == 1 {
      assert user + id == user;
    } else if |id| == 1 {
      assert user + id == id;
    }
  }

  predicate IsPresent<T>(o: Option<T>)
  {
    o.Some?
  }

  /** `without_nones`: the present items' values, in their original order. */
  function WithoutNones<T(!new)>(items: seq<Option<T>>): (r: seq<T>)
    ensures forall x :: x in r <==> Some(x) in items
    ensures |r| == |Filter(items, IsPresent)|
    ensures forall k :: 0 <= k < |r| ==> Filter(items, IsPresent)[k] == Some(r[k])
  {
    forall x ensures x in Values(items) <==> Some(x) in items {
      ValuesMembership(items, x);
    }
    ValuesInOrder(items);
    Values(items)
  }

  /** The k-th value is the value of the k-th present item. */
  lemma {:induction false} ValuesInOrder<T>(xs: seq<Option<T>>)
    ensures |Values(xs)| == |Filter(xs, IsPresent)|
    ensures forall k :: 0 <= k < |Values(xs)| ==> Filter(xs, IsPresent)[k] == Some(Values(xs)[k])
  {
    if xs != [] {
      ValuesInOrder(xs[1..]);
      var v := Values(xs[1..]);
      var f := Filter(xs[1..], IsPresent);
      if xs[0].Some? {
        assert Values(xs) == [xs[0].value] + v;
        assert Filter(xs, IsPresent) == [xs[0]] + f;
      } else {
        assert Values(xs) == v;
        assert Filter(xs, IsPresent) == f;
      }
    }
  }

  /** Sum of the item sizes of a batch. */
  function SumSizes<T>(batch: seq<T>, sizeFunc: T -> int): int
  {
    if batch == [] then 0 else sizeFunc(batch[0]) + SumSizes(batch[1..], sizeFunc)
  }

  lemma {:induction false} SumSizesAppend<T>(batch: seq<T>, item: T, sizeFunc: T -> int)
    ensures SumSizes(batch + [item], sizeFunc) == SumSizes(batch, sizeFunc) + sizeFunc(item)
  {
    if batch == [] {
      assert batch + [item] == [item];
    } else {
      assert (batch + [item])[1..] == batch[1..] + [item];
      SumSizesAppend(batch[1..], item, sizeFunc);
    }
  }

  /** Within a batch, every item after the first fitted into the size when it was added. */
  ghost predicate FillsGreedily<T>(batch: seq<T>, size: int, sizeFunc: T -> int)
  {
    forall j :: 0 < j < |batch| ==> SumSizes(batch[..j], sizeFunc) + sizeFunc(batch[j]) <= size
  }

  /** The batches `iter_batches` yields: together they are the input, none is empty,
      each filled greedily, and each closed only when the next item did not fit. */
  ghost predicate GreedyBatches<T>(items: seq<T>, size: int, sizeFunc: T -> int, batches: seq<seq<T>>)
  {
    Concat(batches) == items
    && (forall k :: 0 <= k < |batches| ==> batches[k] != [] && FillsGreedily(batches[k], size, sizeFunc))
    && (forall k :: 0 <= k < |batches| - 1 ==> SumSizes(batches[k], sizeFunc) + sizeFunc(batches[k + 1][0]) > size)
  }

  /** Adding an item to a batch keeps it greedy when the item fits, or when it is the
      batch's first item. */
  lemma {:induction false} AppendFills<T>(batch: seq<T>, item: T, size: int, sizeFunc: T -> int)
    requires FillsGreedily(batch, size, sizeFunc)
    requires batch != [] ==> SumSizes(batch, sizeFunc) + sizeFunc(item) <= size
    ensures FillsGreedily(batch + [item], size, sizeFunc)
    ensures SumSizes(batch + [item], sizeFunc) == SumSizes(batch, sizeFunc) + sizeFunc(item)
    ensures (batch + [item])[0] == if batch == [] then item else batch[0]
  {
    var b := batch + [item];
    assert b[..|batch|] == batch;
    SumSizesAppend(batch, item, sizeFunc);
    forall j | 0 < j < |b| ensures SumSizes(b[..j], sizeFunc) + sizeFunc(b[j]) <= size {
      if j < |batch| {
        assert b[..j] == batch[..j];
      }
    }
  }

  /** Closing a non-empty greedy batch after greedy batches keeps the batches greedy. */
  lemma {:induction false} CloseBatch<T>(batches: seq<seq<T>>, batch: seq<T>, size: int, sizeFunc: T -> int)
    requires GreedyBatches(Concat(batches), size, sizeFunc, batches)
    requires batch != [] && FillsGreedily(batch, size, sizeFunc)
    requires batches != [] ==> SumSizes(batches[|batches| - 1], sizeFunc) + sizeFunc(batch[0]) > size
    ensures Concat(batches + [batch]) == Concat(batches) + batch
    ensures GreedyBatches(Concat(batches + [batch]), size, sizeFunc, batches + [batch])
  {
    ConcatAppend(batches, [batch]);
    assert Concat([batch]) == batch;
    var nb := batches + [batch];
    forall k | 0 <= k < |nb| ensures nb[k] != [] && FillsGreedily(nb[k], size, sizeFunc) {
      if k < |batches| { assert nb[k] == batches[k]; }
    }
    forall k | 0 <= k < |nb| - 1 ensures SumSizes(nb[k], sizeFunc) + sizeFunc(nb[k + 1][0]) > size {
      if k < |batches| - 1 {
        assert nb[k] == batches[k] && nb[k + 1] == batches[k + 1];
      } else {
        assert nb[k] == batches[|batches| - 1] && nb[k + 1] == batch;
      }
    }
  }

  /** The state of `iter_batches` after reading `prefix`: the yielded batches are greedy,
      and the open batch continues them greedily. */
  ghost predicate BatchingState<T>(prefix: seq<T>, batches: seq<seq<T>>, batch: seq<T>, size: int, sizeFunc: T -> int)
  {
    Concat(batches) + batch == prefix
    && GreedyBatches(Concat(batches), size, sizeFunc, batches)
    && FillsGreedily(batch, size, sizeFunc)
    && (batches != [] && batch != [] ==> SumSizes(batches[|batches| - 1], sizeFunc) + sizeFunc(batch[0]) > size)
  }

  /** An item that fits, or that starts the first batch, joins the open batch. */
  lemma {:induction false} StateAdd<T>(items: seq<T>, i: nat, batches: seq<seq<T>>, batch: seq<T>, size: int, sizeFunc: T -> int)
    requires i < |items| && BatchingState(items[..i], batches, batch, size, sizeFunc)
    requires batch == [] ==> batches == []
    requires batch != [] ==> SumSizes(batch, sizeFunc) + sizeFunc(items[i]) <= size
    ensures BatchingState(items[..i + 1], batches, batch + [items[i]], size, sizeFunc)
    ensures SumSizes(batch + [items[i]], sizeFunc) == SumSizes(batch, sizeFunc) + sizeFunc(items[i])
  {
    assert items[..i + 1] == items[..i] + [items[i]];
    AppendFills(batch, items[i], size, sizeFunc);
  }

  /** An item that does not fit closes the open batch and starts a new one. */
  lemma {:induction false} StateClose<T>(items: seq<T>, i: nat, batches: seq<seq<T>>, batch: seq<T>, size: int, sizeFunc: T -> int)
    requires i < |items| && BatchingState(items[..i], batches, batch, size, sizeFunc)
    requires batch != [] && SumSizes(batch, sizeFunc) + sizeFunc(items[i]) > size
    ensures BatchingState(items[..i + 1], batches + [batch], [items[i]], size, sizeFunc)
    ensures SumSizes([items[i]], sizeFunc) == sizeFunc(items[i])
  {
    assert items[..i + 1] == items[..i] + [items[i]];
    CloseBatch(batches, batch, size, sizeFunc);
    assert [items[i]][..0] == [];
  }

  /** `iter_batches`, collecting the yielded batches. */
  method IterBatches<T>(items: seq<T>, size: int, sizeFunc: T -> int) returns (batches: seq<seq<T>>)
    ensures GreedyBatches(items, size, sizeFunc, batches)
  {
    batches := [];
    var batch: seq<T> := [];
    var currentSize := 0;
    for i := 0 to |items|
      invariant BatchingState(items[..i], batches, batch, size, sizeFunc)
      invariant |batch| == 0 <==> i == 0
      invariant i == 0 ==> batches == []
      invariant currentSize == SumSizes(batch, sizeFunc)
    {
      var item := items[i];
      var itemSize := sizeFunc(item);
      if currentSize + itemSize > size && |batch| > 0 {
        StateClose(items, i, batches, batch, size, sizeFunc);
        batches := batches + [batch];
        batch := [item];
        currentSize := itemSize;
      } else {
        StateAdd(items, i, batches, batch, size, sizeFunc);
        batch := batch + [item];
        currentSize := currentSize + itemSize;
      }
    }
    assert items[..|items|] == items;
    if |batch| > 0 {
      CloseBatch(batches, batch, size, sizeFunc);
      batches := batches + [batch];
    }
  }

  /** A batch of several items is within the size: its last item was added only because
      it fitted. */
  lemma {:induction false} SeveralItemsFit<T>(b: seq<T>, size: int, sizeFunc: T -> int)
    requires FillsGreedily(b, size, sizeFunc)
    ensures |b| > 1 ==> SumSizes(b, sizeFunc) <= size
  {
    if |b| > 1 {
      assert b[..|b| - 1] + [b[|b| - 1]] == b;
      SumSizesAppend(b[..|b| - 1], b[|b| - 1], sizeFunc);
    }
  }

  /** A batch whose size exceeds the target holds a single item. */
  lemma OversizedBatchIsSingle<T>(items: seq<T>, size: int, sizeFunc: T -> int, batches: seq<seq<T>>, k: nat)
    requires GreedyBatches(items, size, sizeFunc, batches)
    requires k < |batches| && SumSizes(batches[k], sizeFunc) > size
    ensures |batches[k]| == 1
  {
    SeveralItemsFit(batches[k], size, sizeFunc);
  }

  lemma {:induction false} UnitSizes<T>(batch: seq<T>)
    ensures SumSizes(batch, (_: T) => 1) == |batch|
  {
    if batch != [] {
      UnitSizes(batch[1..]);
    }
  }

  /** With the default unit size and a target of at least one, every batch but the last
      holds exactly `size` items, and the last at most that many. */
  lemma UnitBatchesAreFull<T>(items: seq<T>, size: int, batches: seq<seq<T>>)
    requires size >= 1
    requires GreedyBatches(items, size, (_: T) => 1, batches)
    ensures forall k :: 0 <= k < |batches| - 1 ==> |batches[k]| == size
    ensures batches != [] ==> |batches[|batches| - 1]| <= size
  {
    var f := (_: T) => 1;
    forall k | 0 <= k < |batches| ensures |batches[k]| <= size {
      var b := batches[k];
      if |b| > 1 {
        var j := |b| - 1;
        UnitSizes(b[..j]);
        assert SumSizes(b[..j], f) + f(b[j]) <= size;
      }
    }
    forall k | 0 <= k < |batches| - 1 ensures |batches[k]| >= size {
      UnitSizes(batches[k]);
      assert SumSizes(batches[k], f) + f(batches[k + 1][0]) > size;
    }
  }

  /** `page_params_to_redis_indices`: the inclusive Redis range of `count` entries that
      ends `offset` entries before the last one. */
  function PageParamsToRedisIndices(offset: int, count: int): (r: Throws<(int, int)>)
    ensures r.Raises? <==> offset < 0 || count < 0
    ensures offset < 0 ==> r.message == "offset must be non-negative, got offset=" + IntToString(offset)
    ensures offset >= 0 && count < 0 ==> r.message == "count must be non-negative, got count=" + IntToString(count)
    ensures r.Returns? ==> r.value.1 == -1 - offset && r.value.1 - r.value.0 + 1 == count
  {
    if offset < 0 then Raises("offset must be non-negative, got offset=" + IntToString(offset))
    else if count < 0 then Raises("count must be non-negative, got count=" + IntToString(count))
    else
      var end := -1 - offset;
      var start := end - (count - 1);
      Returns((start, end))
  }

  /** The index pairs the unit tests expect. */
  lemma PageParamsExamples()
    ensures PageParamsToRedisIndices(0, 10) == Returns((-10, -1))
    ensures PageParamsToRedisIndices(1, 10) == Returns((-11, -2))
    ensures PageParamsToRedisIndices(0, 0) == Returns((0, -1))
    ensures PageParamsToRedisIndices(10, 0) == Returns((-10, -11))
  {
  }

  /** The page a caller asks for: the `count` entries ending `offset` entries before the
      end of the list, as far as the list reaches. */
  function PageSlice<T>(xs: seq<T>, offset: nat, count: nat): (r: seq<T>)
    ensures |r| <= count
  {
    var hi := if |xs| - offset < 0 then 0 else |xs| - offset;
    var lo := if hi - count < 0 then 0 else hi - count;
    xs[lo..hi]
  }

  /** For a non-empty page, the Redis range of the indices reads exactly that page. */
  lemma PageIndicesReadPage<T>(xs: seq<T>, offset: nat, count: nat)
    requires count >= 1
    ensures RedisList.LRange(xs, PageParamsToRedisIndices(offset, count).value.0, PageParamsToRedisIndices(offset, count).value.1)
      == PageSlice(xs, offset, count)
  {
  }

  /** As written, an empty page at offset 0 is the range 0 .. -1, which Redis reads as
      the whole list. */
  lemma EmptyFirstPageReadsAll<T>(xs: seq<T>)
    requires xs != []
    ensures PageParamsToRedisIndices(0, 0) == Returns((0, -1))
    ensures RedisList.LRange(xs, 0, -1) == xs != PageSlice(xs, 0, 0)
  {
  }

  /** `preprocess_markdown_for_telegram`: an empty text is kept; any other goes through
      `toTelegram`, which stands for `telegramify_markdown.markdownify`. */
  function PreprocessMarkdown(text: string, toTelegram: string -> string): (r: string)
    ensures text == "" ==> r == ""
    ensures text != "" ==> r == toTelegram(text)
  {
    if text == "" then text else toTelegram(text)
  }

  /** `preprocess_for_telegram`: markdown texts go through PreprocessMarkdown, each
      translation on its own; texts in any other markup are left alone. */
  function PreprocessForTelegram(text: LocalizableText, markup: FlowTypes.TextMarkup, toTelegram: string -> string)
    : (r: LocalizableText)
    ensures markup != FlowTypes.Markdown ==> r == text
    ensures markup == FlowTypes.Markdown && text.Plain? ==> r == Plain(PreprocessMarkdown(text.text, toTelegram))
    ensures markup == FlowTypes.Markdown && text.Localized? ==> r.Localized? && Keys(r.entries) == Keys(text.entries)
    ensures markup == FlowTypes.Markdown && text.Localized? ==>
      r.Localized? && forall lang :: Lookup(r.entries, lang) == ConvertedTranslation(text.entries, lang, toTelegram)
  {
    if markup != FlowTypes.Markdown then text
    else match text
      case Plain(s) => Plain(PreprocessMarkdown(s, toTelegram))
      case Localized(entries) =>
        var converted := Map(entries, (e: (string, string)) => (e.0, PreprocessMarkdown(e.1, toTelegram)));
        forall lang ensures Lookup(converted, lang) == ConvertedTranslation(entries, lang, toTelegram) {
          ConvertedLookup(entries, toTelegram, lang);
        }
        Localized(converted)
  }

  /** The converted translation for `lang`, if the entries have one. */
  function ConvertedTranslation(entries: Entries, lang: string, toTelegram: string -> string): Option<string>
  {
    match Lookup(entries, lang)
    case None => None
    case Some(v) => Some(PreprocessMarkdown(v, toTelegram))
  }

  /** Converting every translation converts what each language looks up. */
  lemma {:induction false} ConvertedLookup(entries: Entries, toTelegram: string -> string, lang: string)
    ensures var converted := Map(entries, (e: (string, string)) => (e.0, PreprocessMarkdown(e.1, toTelegram)));
      Lookup(converted, lang) == ConvertedTranslation(entries, lang, toTelegram)
  {
    if entries != [] {
      ConvertedLookup(entries[1..], toTelegram, lang);
      var converted := Map(entries, (e: (string, string)) => (e.0, PreprocessMarkdown(e.1, toTelegram)));
      assert converted[1..] == Map(entries[1..], (e: (string, string)) => (e.0, PreprocessMarkdown(e.1, toTelegram)));
    }
  }
}
